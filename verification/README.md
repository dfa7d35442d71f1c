# Static adapter: proofs about its rules and its file watching

This project models the adapter that applies `_headers` and `_redirects` files and proves properties of the
model. It follows two systems.

**Rules.** Patterns are compiled to head, star segment and tail; rules are put into buckets and merged back by file
position; values are compiled to templates whose escaping context is fixed at load time; repeated headers of a rule
are merged ahead of time. Every fast form is proved against a slow one: a path that is some instance of the pattern
text, the first matching rule of a linear scan, all operations of all matching rules in file order, the one most
specific rule applied alone to an empty response.

**Watching.** The hub that shares one fsnotify watcher between handlers is a linked structure of objects updated in
place. The cache, the reload of a file that may be written at any moment, and the debouncing of events are systems of
atomic steps, proved over every interleaving; beside each of them stands the code of its critical section as a method
that takes one of those steps.

How the program's notions appear:

- A Go string is a Dafny string whose characters are its bytes; bytes that are no UTF-8 decode to U+FFFD one by one, as
  in Go. Case tables are a parameter, of which is asked only that nothing but '/' folds to '/', and, for the exact
  condition of folding alone, that nothing folds like U+FFFD.
- Patterns, templates and compiled rules, which never change after loading, are values; the loops that build and walk
  them are methods proved against functions, whose meaning lemmas then state.
- `WatchHub.Hub` has the source's fields and pointers. `Links` is the value of all its pointers at one moment; lemmas
  about it carry the invariant, and each method says which links it changes. What the operating system answers during
  one call is a `World`.
- In `FileCache` the handler's mutex is a field; a cached file is an identifier into a table of entries. In `Reload` a
  file is its version stamp, which determines its content and may come back. In `Debounce` an event is owed until a
  reload of its path starts, or missed when the callback that was to reload it finds no cached file. `Delivery` puts the
  hub's loop and all debouncers together, `Freshness` the cache entry, the debouncing and the reloading of one file;
  `Subscribing` follows one hold of the mutex within all runs of `FileCache`.

Modules, from the bottom up: `Paths`, `Utf8`, `Folding`, `Sorting`, `Patterns`, `Matching`, `MatchingLaws`, `Captures`,
`Requests`, `FoldedMatching`, `Escaping`, `Templates`, `Expansion`, `UrlContext`, `RuleIndex`, `Redirects`, `Destinations`,
`Authorities`, `QueryContext`, `HeaderOps`, `HeaderApply`, `MergeLaws`, `HeaderRules`, `HeaderMatching`, `Ranking`, `Dedup`,
`HeaderTexts`; `WatchHub`, `FileCache`, `HubListing`, `Reload`, `Debounce`, `Delivery`, `Subscribing`, `Freshness`; `Scan`,
`HeaderParser`, `HeaderFiles`; `PathAccess`.

## Where the code differs from its comments

- `pattern.go:101-102` says that of a name used twice the later segment's value wins. Segments after a splat are
  matched from the right (`pattern.go:190`), so there the leftmost value wins. `Captures.LaterWinsIff` gives the exact
  condition, `Captures.RepeatedInTailExample` an input.
- `headers.go:206` takes an existing value "" for an absent header, while merging (`headers_compile.go:311`) joins it
  with a comma. `MergeLaws.MergedRuleAlone` and `Dedup.MostSpecificWins` say exactly when that shows: when the last
  run of values of a header starts with "" and goes on. `MergeLaws.EmptyFirstExample` is an input, and
  `HeaderTexts.WonAloneIff` says for which rules no request can make it show.
- `pattern.go:331-332` names four characters that end an authority; the scanner also ends it at a space, a tab, a double
  quote, `<` and `>` (`pattern.go:370-371`). An authority ends here where it ends for the scanner.
- `redirects.go:44-52` says that no destination is sent when a value would go into its host and is no host label. That
  holds for the authority after a scheme as the template scanner sees it (`Destinations.AbsoluteKeepsHost`). But browsers
  read `\` as `/` (`pattern.go:331-332`) and skip further slashes, so a request can still change the host in three ways:
  no reference after `//`, `/\` or `https:///` is flagged (`pattern.go:333-338`), and escaping keeps `@` and `:`;
  references that expand to nothing or to slashes can leave a path with `/\` in front; and an empty value passes for a
  host label. `Authorities.OwnHostIff` gives the exact condition on the rule's text; `Authorities.RelativeExample`,
  `Authorities.BackslashExample` and `Authorities.EmptyLabelExample` are inputs.
- `filewatcher.go:245-249` says that a change during a load is loaded again by its watcher event or the next check. For
  the first load of a file it may be the next check alone: a callback that looks the file up before its entry is
  published returns at once (`filewatcher.go:357-361`). `Freshness.QuietCurrentIff` gives the exact condition under which
  what is served is up to date, `Freshness.TooEarlyExample` is a run where it is not, and `Freshness.NextCheckLoads`
  shows the repair.
- `filewatcher.go:216-218` says that a file is reloaded when it changed since the last successful load. The version of
  that load stays recorded while the file is missing (`filewatcher.go:226-230`) and when the file changes during the
  next load, whose text is then kept (`filewatcher.go:254-258`). When the file gets the recorded version back, a check
  takes that text for its rules. `Reload.SkipRightIff` says exactly when skipping is right, `Reload.RecurringStampFools`
  is a run where it is not; a reload caused by a watcher event repairs it, as it never skips.
- With folding, text around a `*` is compared byte by byte first (`pattern.go:200-203`). A pattern whose bytes are not
  well-formed UTF-8 can so match half a rune that no folded text matches (`Folding.HalfRuneExample`);
  `FoldedMatching.FoldRefinesIff` says for which patterns this cannot happen. All well-formed ones are among them.

## Model

| member | source | states |
|---|---|---|
| Patterns.Segments | pattern.go:103-119 | a loop over the parts: slots by first use of a name, names in order of first use after the earlier ones, placeholder characters taken off the literal length |
| Patterns.CompilePattern | pattern.go:81-99 | the loop form gives the pattern cut at the first `*`, head and tail sharing one list of names |
| MatchingLaws.SplitAtStar | pattern.go:84-97 | the cut around `*` puts head, the two halves of the star segment and tail back together into the pattern's own segments |
| Matching.MatchHead | pattern.go:180-186 | consuming the path from the left matches exactly the first segments of the split path, and stores their values in order |
| Matching.MatchTail | pattern.go:190-196 | consuming what is left from the right matches exactly the last segments, leaving the head's text alone; values are stored right to left |
| Matching.MatchWhole | pattern.go:161-178 | without a splat, matches exactly when the split path has as many segments and each matches |
| Matching.Walk | pattern.go:159-208 | succeeds exactly when the declarative match exists; the bounds delimit the splat in the path and the value slots are those of the match |
| Matching.Capture | pattern.go:143-155 | values and splat are those of the match; false exactly when there is none |
| MatchingLaws.ParseIffReads | pattern.go:157-208 | a match is found exactly when the path reads as head segments, `before + splat + after` and tail segments with slash-free parts in place of placeholders; so the decomposition is unique |
| MatchingLaws.MatchesIffInstance | pattern.go:55-63 | on the raw pattern text: a path matches exactly when it is the pattern with each placeholder segment replaced by some slash-free text and `*` by any text |
| MatchingLaws.SplatMatchesAffixes | pattern.go:199-207 | with a splat and no placeholder, matching is a prefix and a suffix of the raw text that do not overlap |
| MatchingLaws.ExactMatchesItself | pattern.go:121-124 | a pattern without splat and placeholders matches its own text and nothing else |
| MatchingLaws.FirstSegmentSound | pattern.go:126-133 | every matching path has the first segment that the pattern fixes |
| MatchingLaws.FirstSegmentFixed | pattern.go:126-133 | and a pattern that starts with `/`, a literal segment and another `/` fixes it |
| Captures.CapturedValue | pattern.go:39-47 | which segment's value a slot ends up with: the leftmost of the tail, else the last of the head |
| Captures.LaterWinsIff | pattern.go:101-102 | the documented rule that a repeated name takes the later segment's value holds, for all matching paths, exactly when no name is repeated within the tail |
| Captures.RepeatedInTailCompiles | pattern.go:81-99 | the counterexample below is the compiled form of `/*/:x/:x` |
| Captures.RepeatedInTailExample | pattern.go:190-196 | for `/*/:x/:x` and `/s/a/b` the value of `x` is `a`, not the later `b` |
| Requests.CapturesAny | pattern.go:143-155 | for every pattern, with folding or not, and every choice of slash-free values and of a splat, some request captures exactly them |
| Folding.FoldPrefixLen | pattern.go:251-264 | the loop over runes finds the length of the prefix in the bytes of the text, if it is one regardless of case |
| Folding.FoldSuffixLen | pattern.go:267-282 | the same from the end |
| Folding.PrefixLenMeaning | pattern.go:248-250 | succeeds exactly when the first runes fold like the prefix; the length is that of those runes, whatever the prefix's own length |
| Folding.SuffixLenMeaning | pattern.go:266-266 | the same for the last runes |
| Utf8.LastRuneIsLast | pattern.go:273-274 | on any byte string, decoding from the end finds the rune, and the place, that decoding from the start ends with |
| Folding.AffixesRefineIff | pattern.go:199-207 | on all byte strings: text around the `*` fold-matches exactly where the folded texts match byte for byte, and both cut at the same runes, if and only if that text neither ends nor starts within a rune |
| Folding.HalfRuneExample | pattern.go:200-203 | half of a two-byte rune before the `*`, compared by bytes first, matches that rune; folded, it does not |
| Folding.FoldSplit | pattern.go:235-240 | folding a path folds its segments one by one when only '/' folds to '/' |
| FoldedMatching.FoldRefines | pattern.go:173-207 | for any path, well-formed UTF-8 or not, when the text around the `*` keeps whole runes: matching regardless of case succeeds exactly when the pattern with folded literals matches the folded path; splat and values are cut from the original path at the same runes |
| FoldedMatching.FoldRefinesIff | pattern.go:199-207 | that holds of all paths exactly when the pattern's text around the `*` neither ends nor starts within a rune |
| FoldedMatching.WellFormedFoldsWhole | pattern.go:84-97 | which is so of every pattern of well-formed text |
| FoldedMatching.FoldKeyLookup | headers_compile.go:110-112 | for exact patterns and any byte strings, equal keys and matching segment by segment regardless of case are the same |
| FoldedMatching.MatchesAlike | pattern.go:219-240 | so a pattern without `*` and placeholders, matched without regard to case, matches exactly the paths that are its own text rune by rune: ASCII letters in either case, other runes that the case table maps alike, and an ASCII letter and a rune that the table maps to it in lower case |
| FoldedMatching.AsciiAlike | pattern.go:225-231 | between ASCII texts that means the same letters in whatever case |
| Templates.FirstIsLongest | pattern.go:322-323 | taking the first token that matches, sorted by length, takes the longest one |
| Templates.Compile | pattern.go:305-379 | the index and flag loop gives the recursive tokenisation with its context flags |
| Expansion.CompileTemplateLossless | pattern.go:311-378 | dynamic exactly when some position of the text starts a token; then the parts' source texts concatenate to the text, every reference is the longest token at its place, and no position within a literal part starts one |
| Expansion.Expand | pattern.go:412-433 | the loop over the parts gives the concatenation of their expansions |
| Expansion.ExpandJoin | pattern.go:381-392 | joining templates distributes over expansion |
| Escaping.EscapeSplat | pattern.go:460-466 | each segment escaped, slashes kept |
| Escaping.EscapedInert | pattern.go:406-411 | no escaped value holds `\`, `?`, `#`, `;`, `,`, `<`, `>`, a quote, a space or a tab, and apart from the separators of a splat no slash; `@` and `:` are kept in paths |
| Escaping.EscapeRoundTrip | pattern.go:406-411 | undoing the percent-encoding (section 2.1 of RFC 3986) gives the captured value back, in paths and in queries |
| Escaping.HostLabelVerbatim | pattern.go:435-439 | host labels are expanded verbatim |
| UrlContext.ContextIsStable | pattern.go:325-328 | running the query and fragment scanner over the expanded text gives, before every part, the state and the flag recorded at load time |
| QueryContext.QueryFlagMeans | pattern.go:325-372 | and that flag says, in terms of the text alone, whether a `?` opens a query string before the reference: one with no `#`, space, tab, double quote, `<` or `>` since, and no `#` before it after the last of those |
| QueryContext.ReferenceWritten | pattern.go:406-433 | what every reference of a compiled text expands to, byte by byte: in a query string only letters, digits, `-`, `_`, `.` and `~` stay and a space is a `+`; elsewhere `$`, `&`, `+`, `=`, `:`, `@` and the slashes of a splat stay too; every other byte is `%` and two digits |
| QueryContext.NoSeparatorsWritten | pattern.go:406-408 | so a value in a query string holds no `&`, `=`, `#` or `?`, and a `+` only for a space |
| QueryContext.FindExample | pattern.go:363-372 | for `/:x` to `/find?q=:x`, the request `/a&b` is sent to `/find?q=a%26b` |
| UrlContext.AbsoluteFlagged | pattern.go:331-372 | for a text that starts with a scheme, the parts after it carry exactly the flags of the authority scanner |
| UrlContext.AuthorityFlagged | pattern.go:331-372 | from where a browser starts to read the authority, `\` taken for `/` and any number of them skipped, the parts carry the scanner's flags, inside the authority exactly when no slash follows the scheme |
| UrlContext.FlagsAreAuthority | pattern.go:331-372 | the flagged references are exactly those that lie in the authority, so checking the flagged values checks the authority |
| UrlContext.HostEnds | pattern.go:363-371 | an authority is the text up to the first `/`, `\`, `?`, `#`, space, tab, double quote, `<` or `>` |
| UrlContext.AuthorityIs | pattern.go:331-338 | which starts after `https://`, `http://` or at least two slashes, past any further ones, with `\` taken for `/` |
| UrlContext.NoAuthorityIff | pattern.go:331-338 | no other text has an authority |
| UrlContext.ExpandedHost | pattern.go:435-439 | when every reference in an authority has a host label, the authority of the expansion is the one written, with the labels in place of the references |
| Redirects.CompileRedirects | redirects.go:102-121 | each bucket holds exactly its rules with their positions, in file order |
| Redirects.FirstMatchingIs | redirects.go:123-125 | the linear specification is the matching rule of the lowest position, or none |
| Redirects.MatchFirst | redirects.go:126-162 | exact map, first-segment and catch-all buckets with merge and early break return what the linear scan over all rules returns |
| Destinations.HostValuesValid | pattern.go:440-456 | exactly whether all values in the authority are host labels |
| Destinations.ExpandRedirect | redirects.go:53-74 | the destination, or none exactly when a value in the host is no label |
| Destinations.RefusedIff | pattern.go:435-456 | a matching redirect is refused exactly when a value that goes into its host has a byte that is no ASCII letter, digit or hyphen |
| Destinations.AuthorityIsTemplates | pattern.go:331-338 | for every text with an authority: when the references in it have host labels, the expansion goes on there with the text's own authority, the values verbatim, and that is its authority unless it is empty |
| Destinations.AbsoluteKeepsHost | redirects.go:44-52 | end to end: a destination with a scheme is sent with the authority, as the template scanner sees it, that the rule spells out, with labels only, or not at all |
| Destinations.PathStaysLocal | redirects.go:66-72 | a destination starting with `//` or `/\` keeps an authority; another path gets one only by expanding to `/\`, which its text must lead to; expansion adds no second slash and no backslash |
| Authorities.OwnHostIff | redirects_parser.go:168-177 | over all destinations that the parser admits: every request is sent to the authority that the rule spells out, with host labels in it, exactly when the rule's text does not let the host vary: by a reference in an authority that follows `//`, `/\` or further slashes, by references before a backslash that follows the first slash, or by an authority of references only that can become empty |
| Authorities.OwnHostSent | redirects.go:53-74 | the good half, for one request |
| Authorities.OtherHostSent | redirects.go:53-74 | the bad half: for every such rule some request is sent to another authority |
| Authorities.AnyHostSent | pattern.go:381-388 | for a reference in an authority that no flag marks: any text that escaping keeps, such as a host name, is put into the authority sent by some request |
| Authorities.BackslashSent | redirects.go:66-72 | for a path whose references lead to a backslash: some request is sent to a text that starts with `/\` |
| Authorities.EmptyLabelSent | pattern.go:440-456 | for an authority of references only: empty values pass the check for labels, and a browser finds another authority further on |
| Authorities.RelativeExample | redirects.go:66-72 | for `/:x` to `//a:x/`, the request `/@b` is sent to `//a@b/`, whose authority is `a@b` |
| Authorities.BackslashExample | pattern.go:331-332 | for `/:x` to `/\:x/`, the request `/b.c` is sent to `/\b.c/`, whose authority is `b.c` |
| Authorities.EmptyLabelExample | pattern.go:440-456 | for `/:x` to `https://:x/b`, the request `/` is sent to `https:///b`, whose authority is `b` |
| HeaderOps.CompileOps | headers_compile.go:34-51 | templates for all values exactly when some value references the pattern |
| HeaderOps.MergeRepeated | headers_compile.go:286-321 | rewriting the merged operations in place gives the fold that merges one operation at a time |
| HeaderOps.MergeCommutesWithExpansion | headers_compile.go:99-102 | expanding merged operations is merging expanded operations |
| HeaderApply.ApplyHeaders | headers.go:196-218 | the response after the loop is the fold of single operations over the response before |
| HeaderApply.ApplyOthers | headers.go:196-218 | headers that are not mentioned stay |
| HeaderApply.ApplyConcat | headers.go:196-218 | applying two lists in turn is applying their concatenation |
| MergeLaws.ApplyPlain | headers.go:201-212 | applied one by one to an empty response, a header holds the values set since its last removal, joined the response's way |
| MergeLaws.CookieLines | headers_parser.go:33-38 | `Set-Cookie` has one line for every value set since its last removal, applied one by one or merged |
| MergeLaws.OneLine | headers_parser.go:33-38 | every other header has at most one line, those values with commas between them; applied one by one, empty values in front leave no trace |
| MergeLaws.JoinsAgree | headers.go:206-210 | the response's joining, which takes "" for absent, and merging's joining agree exactly for runs that do not start with "" and go on |
| MergeLaws.MergedTracks | headers_compile.go:302-319 | what merging has made of a header at every point, and the lines it gives when applied |
| MergeLaws.MergedRuleAlone | headers_compile.go:281-285 | overwriting with a rule's merged operations gives each mentioned header what the rule's own operations give it in an empty response, exactly unless its last run of values starts with "" and goes on; other headers stay |
| MergeLaws.EmptyFirstExample | headers_compile.go:311-311 | a header set to "" and then to `a` gives the line `a` alone and `, a` merged |
| RuleIndex.SelectHolds | headers_compile.go:58-60 | a bucket holds exactly the kept rules, in file order |
| HeaderRules.CompileRule | headers_compile.go:91-105 | a rule's pattern, templates, merged templates and specificity |
| HeaderRules.CompileRules | headers_compile.go:85-124 | exact buckets by key, wildcards in file order, and their stable sort by specificity |
| Sorting.StableSortOrders | headers_compile.go:118-121 | the sort is a permutation that orders by key and keeps file order between equal keys |
| Ranking.LiteralLenIs | pattern.go:73-75 | the literal length of a compiled pattern is the number of characters of its text without placeholder segments and `*` |
| Ranking.ScoresRank | headers_compile.go:246-263 | one compiled pattern scores higher than another exactly when its text outranks the other: it has neither `*` nor placeholder and the other has; or it has more literal characters; or as many and, unlike the other, no `*` |
| HeaderMatching.ExactLookup | headers_compile.go:141-141 | the rules found under a path's key are the exact rules that match it, folded or not |
| HeaderMatching.ExpandOps | headers_compile.go:267-279 | the operations with captured values substituted, also where templates were never allocated |
| HeaderMatching.MatchExactOnly | headers_compile.go:212-221 | without wildcards, all operations of all matching rules in file order |
| HeaderMatching.MatchWildcardOnly | headers_compile.go:224-235 | without exact rules, all operations of all matching rules in file order |
| HeaderMatching.MatchMerged | headers_compile.go:153-181 | the two-pointer merge gives all operations of all matching rules in file order |
| HeaderMatching.MatchOrdered | headers_compile.go:134-182 | on all three ways: the concatenation in file order of the expanded operations of every rule whose host and pattern match |
| HeaderMatching.HostChooses | headers_compile.go:165-174 | the host only chooses: matching for a host is matching without regard to hosts among the rules that name none or whose host the test accepts |
| Dedup.MatchBySpecificity | headers_compile.go:188-209 | the merged operations of the matching rules in order of specificity, exact rules last |
| Dedup.OrderOrdered | headers_compile.go:244-264 | later in that order means a text that outranks, or texts of which neither outranks the other and later in the file |
| Dedup.OrderComplete | headers_compile.go:191-205 | every rule that matches is in that order |
| Dedup.LastBlockWins | headers_compile.go:22-24 | a rule that no later one overrides decides a header |
| Dedup.MostSpecificWins | headers.go:188-192 | end to end: after dedup matching and applying, a header holds what the matching rule whose text no other outranks, the last of those, yields alone, without dedup, in an empty response; exactly unless its last run starts with "" and goes on |
| Dedup.UnmentionedStay | headers.go:188-192 | headers that no matching rule mentions are unchanged |
| Dedup.SomeRuleWins | headers_compile.go:184-187 | such a rule exists whenever some matching rule mentions the header |
| Dedup.SetHeaders | headers.go:74-80 | the response in dedup mode and in file-order mode |
| HeaderTexts.VanishesIff | pattern.go:391-433 | a value expands to nothing for some request exactly when its text is empty or nothing but references |
| HeaderTexts.WonAloneIff | headers_compile.go:281-311 | over all files with the rule, all requests that it wins and all responses: the header holds what the rule gives it alone exactly when the rule's text does not let the first value of a continued last run be empty |
| HeaderTexts.SlugOutranks | headers_compile.go:246-251 | `/blog/:slug` outranks `/blog/*` |
| HeaderTexts.BlogExample | headers_compile.go:184-209 | with `X: a` for `/blog/:slug` and then `X: b` for `/blog/*`, dedup gives `/blog/x` the line `a` |
| WatchHub.LinksAgree | watchhub.go:30-44 | a path points at a watch exactly when the hub has the watch and the watch knows that very entry |
| WatchHub.Hub.Attach | watchhub.go:96-125 | succeeds exactly when a watch is on the directory or one can be added; on success the path ends on a watch of that directory; no watch is replaced |
| WatchHub.Hub.Detach | watchhub.go:127-152 | the path points nowhere; every other path of a removed watch ends on a watch of the directory it leads to now, or on none because it cannot be read or watched; no surviving watch is overwritten or dropped from the watcher, every added one is in it; all other paths keep theirs |
| WatchHub.Hub.Reattach | watchhub.go:143-151 | the loop over the paths of a removed watch, each attached by its current target |
| WatchHub.Hub.Subscribe | watchhub.go:53-94 | keeps the hub consistent; on success the path is on a watch with its current identity and the handler is listed; otherwise nobody is listed for the path, and why; other paths and watches as for Detach |
| WatchHub.Hub.Unsubscribe | watchhub.go:176-190 | keeps the hub consistent; exactly the handler goes, and the path with its last handler |
| WatchHub.Hub.Remove | watchhub.go:192-198 | drops the path for all handlers, moving the paths that shared its watch |
| WatchHub.Hub.CloseIfIdle | watchhub.go:200-208 | afterwards the watcher is open exactly when some directory is watched |
| WatchHub.Hub.DropWatch | watchhub.go:154-174 | forgets the watch exactly when fsnotify no longer has it and the event is from the current watcher; its paths point nowhere, subscriptions stay |
| WatchHub.Hub.FsnotifyDrops | watchhub.go:154-158 | fsnotify dropping a directory on its own leaves the hub consistent |
| WatchHub.Hub.TargetsFor | watchhub.go:210-231 | exactly the handlers of that file name under every path whose watch is on the directory |
| WatchHub.Hub.ValidMeans | watchhub.go:20-46 | what consistency means on the objects: pointers agree both ways, a watch is known by its own path, no two watches share an identity, every path has a handler, the watcher is open exactly when there are watches, and fsnotify's list is within them |
| Delivery.EventNeverLost | watchhub.go:233-248 | in every joint run of the event loop, changing subscriptions and all handlers: an event the loop has taken is, for every handler listed then under each of its paths, still with the loop or awaited by a timer or callback, unless that handler is closed or has looked the file up since |
| Delivery.EventReaches | watchhub.go:244-246 | what the loop no longer has in hands it has forwarded, which leaves a pending timer with its entry, unless the handler is closed |
| Delivery.LoopGoesOn | watchhub.go:238-248 | between events the loop can take any event, and forward it to each of its targets |
| Delivery.TargetsAreHubs | watchhub.go:216-233 | the targets that an event is forwarded to are those that the hub finds for it |
| Delivery.NotifyTargets | watchhub.go:244-246 | the loop over the targets leaves every listed handler with a scheduled reload of each of its paths, or closed, and other handlers alone |
| Delivery.FileInDir | watchhub.go:226-226 | the path that an event is forwarded for lies in the directory that was subscribed |
| FileCache.Oldest | filewatcher.go:173-196 | the scan finds an entry before which no other should be evicted: one with rules only when all entries hold rules, and of its kind the least recently checked |
| FileCache.Cache.AddFile | filewatcher.go:179-206 | the code does the eviction step of the interleavings, with a least entry as victim |
| FileCache.StepKeeps | filewatcher.go:128-163 | every atomic step of requests, events, evictions and cleanup keeps the invariant |
| FileCache.NoLeakedSubscription | filewatcher.go:133-143 | over every interleaving: whenever nobody holds the lock, each directory that the hub lists has a published entry marked as watched, and the cache has at most 64 entries |
| FileCache.NeverListedAfterCleanup | filewatcher.go:369-391 | once a call of Cleanup has returned, no continuation of the run lists the handler again |
| FileCache.HolderGoesOn | filewatcher.go:99-101 | from every reachable state in which somebody holds the lock, the holder can go on, whatever the hub or the loader answers |
| FileCache.ThreadGoesOn | filewatcher.go:131-143 | so can every other thread that does not wait for a lock held by another |
| FileCache.OthersCome | filewatcher.go:128-163 | and requests for any file, events for cached ones and cleanups can come at any time |
| Subscribing.HolderEnds | filewatcher.go:138-162 | from every such state the holder comes to its end and gives up the lock, so none of these statements is empty |
| Subscribing.LoadsAndWatches | filewatcher.go:138-162 | from any consistent state, over every interleaving: a request that loads a file not cached, or checks a published one, ends with its entry published, holding what the load gave, and marked as watched exactly if the hub said so; a handler that is open then has asked the hub |
| Subscribing.WatchedStaysListed | filewatcher.go:302-323 | over every run, whenever nobody holds the lock: the hub lists the handler for the directory of every published file marked as watched, unless another handler's failed subscription or a removal has taken the directory off since |
| Subscribing.FirstRequest | filewatcher.go:155-162 | a run in which the first request for `/srv/a/_headers` gets an open handler listed for `/srv/a`, with the entry published, loaded and marked |
| Subscribing.ReloadRefreshes | filewatcher.go:354-367 | a reload caused by an event ends with the file loaded into the entry it found, and asks the hub nothing |
| Subscribing.MissLoads | filewatcher.go:145-162 | from the miss on, whatever others do before the request gets the lock: if the file is still not cached then, it ends published, loaded and, by an open handler, watched as the hub answered |
| Subscribing.EventReloads | filewatcher.go:354-367 | from the event on, likewise: the callback loads the file into the entry that it found |
| Subscribing.CleanupCleans | filewatcher.go:370-391 | a cleanup that gets the lock ends with the handler closed and listed nowhere, whatever runs before, meanwhile and afterwards |
| Subscribing.CheckWhenDue | filewatcher.go:131-133 | a request starts a check exactly when two seconds have passed since the check whose time it read and no other request has started one since |
| Subscribing.LoadsCount | filewatcher.go:155-158 | a load, like a reload, counts as a check: a request that read its time and hits the cache within two seconds of it starts none |
| Subscribing.OneCheck | filewatcher.go:126-127 | of two requests that read the same time, only the first starts a check |
| HubListing.OthersOnlyUnlist | watchhub.go:82-86 | another handler's operations never list this one; a failing subscription takes it off the directory |
| HubListing.RunAgrees | filewatcher.go:306-323 | over every joint run of the handler and others on the hub, the cache's idea of its listing is the hub's |
| HubListing.HubNeverLeaks | watchhub.go:53-57 | in every joint run, the hub's own subscriptions name the handler only for directories of published watched files while its lock is free, and for none once Cleanup has returned |
| HubListing.OwnSubscribe | watchhub.go:59-94 | for the handler itself, subscribing lists it or takes it off |
| Reload.CachedFile.Refresh | filewatcher.go:216-263 | what a check leaves, given what it found before, while and after loading |
| Reload.CheckTakesSteps | filewatcher.go:224-263 | the interleaved steps of a check, with writes anywhere between them, leave just that |
| Reload.RunKeeps | filewatcher.go:224-263 | over every run, with any writes and stamps that come back, rules read from a whole version are that version's |
| Reload.SkipServesCurrent | filewatcher.go:236-238 | whenever a check skips loading and the cached rules were cleanly loaded, they are exactly those of the version that the check found |
| Reload.StableCheckLoads | filewatcher.go:240-262 | a check during which the file is stable and loads ends with the file's rules, cleanly loaded, unless it skips; a forced one never skips |
| Reload.FailuresRetried | filewatcher.go:220-223 | a failure to inspect or load the file leaves the rules served, and the next check that finds the file loads it, changed or not |
| Reload.LoadServes | filewatcher.go:250-263 | once a load has succeeded there are rules to serve: the ones read if there were none before |
| Reload.RulesKept | filewatcher.go:220-223 | rules are dropped only when the file is found missing, and replaced only when the check found one version before and after its load |
| Reload.DroppedOnlyWhenMissing | filewatcher.go:225-230 | over whole runs: rules that disappear were dropped by a check that found no file |
| Reload.SkipRightIff | filewatcher.go:236-275 | after any run, skipping at the recorded version is right for all contents exactly when the cached rules come from an undisturbed load of that version |
| Reload.WrongSkipFollows | filewatcher.go:250-259 | and otherwise, for some contents, the file getting that version back makes the next check keep rules that are not the file's |
| Reload.FreshRunsAreClean | filewatcher.go:265-269 | when no stamp recurs, a check that finds the recorded version finds cleanly loaded rules |
| Reload.CalmRunsAreClean | filewatcher.go:265-269 | when no write falls into a check, the cached rules are always cleanly loaded, whichever stamps come back |
| Reload.RecurringStampFools | filewatcher.go:225-259 | a concrete run, up to and including the wrong skip |
| Freshness.QuietMeansCurrent | filewatcher.go:120-127 | so in runs in which no callback looks the file up while its entry is being added, quiet means that the file's own rules are served, or the last check failed on this very file |
| Freshness.QuietCurrentIff | filewatcher.go:354-367 | over every run, with evictions and re-adding: once nothing is on its way or under way for an open handler's published file, what is served comes from the file as it is exactly when no callback looked the file up while its entry was being added and overtaken by a write, with no check catching up since |
| Freshness.TooEarlyExample | filewatcher.go:357-361 | a run in which a callback finds no entry, the entry is then published, and everything is quiet with rules that are not the file's |
| Freshness.NextCheckLoads | filewatcher.go:236-249 | after such a run, when no stamp recurs, the next check that finds the file does not skip loading it and ends with its rules |
| Freshness.ReloadArrives | filewatcher.go:354-367 | from every reachable state with a published, present file overtaken by a write, no check in progress and no callback that came too early: delivering the event, letting the timer fire and loading without error ends with the file's rules |
| Freshness.StepKeeps | filewatcher.go:132-367 | every step of requests, events, timers, callbacks, evictions and writes keeps the invariant |
| Debounce.Debouncer.ScheduleReload | filewatcher.go:325-352 | the code of an event does its atomic step |
| Debounce.Debouncer.TakeOutEntry | filewatcher.go:343-348 | the callback takes out its own entry only; one that a newer event has overtaken leaves the newer timer's |
| Debounce.Debouncer.StopTimers | filewatcher.go:373-378 | cleanup stops exactly the timers it knows |
| Debounce.RunKeeps | filewatcher.go:328-378 | every interleaving keeps the invariant |
| Debounce.NoEventLost | filewatcher.go:325-367 | in every run, an event not followed by a reload of its path has a timer or a callback under way for it, unless the handler is closed or a callback has found the file not cached since |
| Debounce.MissedByLookup | filewatcher.go:357-361 | a path counts as missed only by a callback whose lookup found nothing |
| Debounce.OnePending | filewatcher.go:325-327 | no path ever has two pending timers |
| Debounce.NonePendingAfterCleanup | filewatcher.go:370-378 | after cleanup no timer is pending, ever |
| Debounce.ReloadFollows | filewatcher.go:343-361 | the timer or callback under way leads to the reload that is owed if the file is cached, and to its being missed if not |
| Scan.RawLinesAre | scan.go:27-27 | lines are the text cut after each line break |
| Scan.LineBreaks | scan.go:42-42 | a line loses one line break, with or without a carriage return, at the end of the file also a carriage return alone, and no more |
| Scan.EventsMeaning | scan.go:10-20 | exactly the lines that end within the size limit are delivered, whole and in order; then the next line is reported, or the read error |
| Scan.SomeFit | scan.go:36-40 | some number of lines always is the one that fits |
| Scan.ScanLines | scan.go:21-59 | reading at most one byte over the limit gives the events of the whole file |
| HeaderParser.RuleMeaning | headers_parser.go:71-121 | every valid pattern line starts a rule, whose operations are those of the valid header lines up to the next pattern line, valid or not, or overlong line that is not indented |
| HeaderParser.FeedAllMeaning | headers_parser.go:104-114 | from any point, parsing with a limit adds the operations ahead to the current rule and then as many more of the file's rules as fit |
| HeaderParser.Parser.OnLine | headers_parser.go:71-114 | the callback's effect on rules, warnings and the current rule |
| HeaderParser.Parse | headers_parser.go:54-124 | with limit n, exactly the first n rules, operations included, of the parse without a limit on rules; limits that are not positive are 100 rules, 1 MiB and 2000 bytes a line |
| HeaderFiles.ParsesAsWritten | headers_parser.go:71-121 | a file written from pattern lines, indented header lines and blank or comment lines, with either line break, is parsed to exactly the rules written, without a warning, as long as it keeps the limits |
| HeaderFiles.FileEvents | scan.go:27-46 | its lines are delivered whole, without their line breaks and with their numbers |
| PathAccess.WindowsPath | path_access.go:48-61 | overwriting the segments gives the path as Windows resolves it |
| PathAccess.SegmentKept | path_access.go:48-60 | a segment keeps its text up to its last character that is neither a dot nor a space |
| PathAccess.DetoursCompared | path_access.go:40-45 | for requests of directories, detours that lead back (empty segments, dots, a segment and two dots, with `/` or `\`), a name, and dots and spaces: the request is taken for a file exactly when the directories and the name are its path by `EqualFold` or by `ToUpper` |
| PathAccess.DetoursProtected | path_access.go:40-45 | so, among ASCII ones, for a protected file exactly when there is no directory and the name is the same letters in whatever case |
| PathAccess.ContainsFold | path_access.go:72-91 | the jumping search finds exactly whether some window starts with the first character and equals the name regardless of case |
| PathAccess.OneSegment | path_access.go:40-45 | a cleaned path that reads like a protected one is a segment of the path it came from |
| PathAccess.NeedsUnderscore | path_access.go:29-32 | a request for a protected file has the name's first character |
| PathAccess.NameInRequest | path_access.go:33-38 | an ASCII request for a protected file holds its name as a window |
| PathAccess.NamesProtectable | headers.go:55-55 | `/_headers` and `/_redirects` are names for which this holds |
| PathAccess.IsProtectedConfigPath | path_access.go:8-46 | for every request path and protected name, the early exits never change the answer of the full comparison; and every spelling of the name in the root, with detours, backslashes, another case and trailing dots and spaces, is refused |

## Left out

- WatchHub.Hub.Subscribe: all answers of the operating system during one call are one `World`, so a directory re-pointed between the stat and the Add of the same call is not modelled.
- WatchHub.Hub.TargetsFor: the targets are a set; the order of the slice, which follows Go's map order, is not modelled, and the file's path comes already cut into directory and name.
- FileCache.NoLeakedSubscription: what a check loads is any outcome here; `Reload` says which. The eviction is one step, with check times fixed during its scan, and other handlers' operations on the hub appear as directories that lose their listing (`HubListing.RunAgrees`).
- Reload.SkipServesCurrent: a version stamp determines the content, so an in-place write that keeps identity, size and modification time is not seen, as in the source; and the rules depend on the content alone, not on whether the directory ignores case.
- Freshness.QuietCurrentIff: for one file of a handler, on a directory that fsnotify keeps watching from the subscription on; a subscription that fails, after which only polling is left, is not modelled.
- Delivery.EventNeverLost: whatever happens to the subscriptions is a step to arbitrary ones, and the loop takes only events that fsnotify delivers; fsnotify losing events is not modelled.
- Authorities.OwnHostIff: an authority ends where the template scanner ends it; tabs and line breaks, which browsers drop from URLs, end it or are refused by the parser.
- Dedup.MostSpecificWins: needs every rule's path to be shorter than 2^62 - 1 bytes, so that its specificity fits in an `int` below `math.MaxInt`.
- HeaderMatching.MatchOrdered: patterns come cut into host and path, and host matching is any predicate; `splitURLPattern`, `matchHost` and the splitting of ports are not modelled.
- Folding.FoldSplit: Unicode's case tables are not part of this model; the lemmas ask of a table that it folds nothing but '/' to '/'.
- HeaderParser.Parse: trimming, single header lines and pattern validity are parameters; canonical header names and the texts of warnings are not modelled.
- Scan.ScanLines: the events are computed at once, while the source calls back for each line and may stop early; `HeaderParser.FeedAll` ignores what comes after the stop.
- Subscribing.WatchedStaysListed: for a handler whose files all have its one file name, as the watcher assumes of every handler.
- PathAccess.IsProtectedConfigPath: `strings.EqualFold` and `strings.ToUpper` are parameters that agree on ASCII letters and treat '_' as a variant of nothing but itself.
- Templates.Compile: patterns, templates and compiled rules are values, so sharing of slices between them is not modelled.
- Caddy modules, Caddyfile parsing, request handling, logging and metrics.
- `redirects_parser.go`, header name and value validation, `totalRules`: each is settled by one branch.
- `cleanRequestPath` and the clean-path function it calls, which is not part of this model.
- Clocks: the time of a check is any integer, and timers fire whenever they are pending.
- fsnotify's own queues: dropping a directory and delivering its event are separate operations of the hub.
